/**
 Two runs of the layered trie that end badly.

 In the first, two keys share a branch; one of them is written inactive, and a
 collecting call in the next layer unlinks it.  In the layer after that the branch
 is a one-child chain that ends in the other key, so that the collected key is
 trapped and inserting it throws.

 In the second, a sweep is started with a single layer above zero.  The gap of two
 layers is not there, and the sweep destroys a node that an insert still looks at.
 */
module LayeredWitnesses {

  import opened Nibbles
  import opened Tries
  import opened SearchTrees
  import opened LayeredTrie
  import opened LayeredSafety
  import opened LayeredSweep
  import opened LayeredTraps

  // ----- what holds of every state a run can reach -----

  /** `R` holds of whatever a step makes of a state of which `R` holds. */
  ghost predicate Closed(R: State -> bool) {
    forall s, step | R(s) && Enabled(s, step) :: R(Apply(s, step))
  }

  ghost predicate Arrives(z: State, s: State) {
    exists run :: Executes(z, run, s)
  }

  lemma ArrivesIsClosed(z: State)
    ensures Closed(s => Arrives(z, s))
  {
    forall s, step | Arrives(z, s) && Enabled(s, step) ensures Arrives(z, Apply(s, step)) {
      var run :| Executes(z, run, s);
      assert [step][1..] == [];
      assert Executes(Apply(s, step), [step][1..], Apply(s, step));
      ExecutesConcat(z, run, s, [step], Apply(s, step));
    }
  }

  // ----- the steps of a call that runs alone -----

  /** `R` holds here, and nothing has gone wrong. */
  ghost predicate In(R: State -> bool, s: State) {
    Closed(R) && R(s) && s.fault == NoFault && s.sweep == Idle && s.dead == {}
  }

  predicate At(s: State, t: Tid, key: Key, collect: bool, pc: Pc) {
    t in s.calls && s.calls[t] == Call(key, collect, pc)
  }

  predicate Below(s: State, n: Id, key: Key, b: Nibble) {
    n in s.cells && n in s.info && Under(s.cells[n].prefix, b, key)
  }

  lemma Start(R: State -> bool, s: State, t: Tid, key: Key, collect: bool) returns (u: State)
    requires In(R, s) && t !in s.calls && |key| == s.K && s.active < |s.rootIds|
    ensures u == s.(calls := s.calls[t := Call(key, collect, Visit(s.rootIds[s.active]))]) && In(R, u)
  {
    u := Apply(s, DoBegin(t, key, collect));
  }

  lemma Load(R: State -> bool, s: State, t: Tid, key: Key, collect: bool, n: Id, b: Nibble) returns (u: State)
    requires In(R, s) && At(s, t, key, collect, Visit(n)) && Below(s, n, key, b)
    ensures u == SetPc(s, t, Loaded(s, n, b)) && In(R, u)
  {
    u := Apply(s, DoVisit(t, BLANK));
  }

  lemma Write(R: State -> bool, s: State, t: Tid, n: Id, key: Key, e: Entry) returns (u: State)
    requires In(R, s) && At(s, t, key, false, Visit(n)) && n in s.cells && n in s.info && s.cells[n].prefix == key
    ensures u == SetPc(s.(cells := s.cells[n := s.cells[n].(entry := Some(e))]), t, Returned) && In(R, u)
  {
    u := Apply(s, DoVisit(t, e));
  }

  /** The state after a swap and its commit. */
  function Swapped(s: State, t: Tid, n: Id, b: Nibble, x: Id, cell: Cell, gone: seq<Id>): State
    requires t in s.calls && n in s.cells && n in s.info
  {
    var kids := s.info[n].kids + if b in s.cells[n].slots then 0 else 1;
    SetPc(s.(
      cells := SetSlot(s.cells, n, b, x)[x := cell],
      info := s.info[n := s.info[n].(kids := kids)][x := Info(s.active, NEVER, |cell.slots|)],
      doomed := s.doomed + (map i | i in Ids(gone) :: t)), t, if gone == [] then Visit(x) else Stamp(gone, Some(x)))
  }

  lemma SwappedFacts(s: State, t: Tid, n: Id, b: Nibble, x: Id, cell: Cell, gone: seq<Id>)
    requires t in s.calls && n in s.cells && n in s.info && n != x
    ensures var u := Swapped(s, t, n, b, x, cell, gone);
      && u.cells.Keys == s.cells.Keys + {x} && u.info.Keys == s.info.Keys + {x} && u.calls.Keys == s.calls.Keys
      && u.cells[x] == cell && u.cells[n] == s.cells[n].(slots := s.cells[n].slots[b := x])
      && (forall m | m in s.cells && m != n && m != x :: u.cells[m] == s.cells[m])
      && (forall m | m in s.info && m != n && m != x :: u.info[m] == s.info[m])
      && u.calls[t] == s.calls[t].(pc := if gone == [] then Visit(x) else Stamp(gone, Some(x)))
      && (forall i | i in s.calls && i != t :: u.calls[i] == s.calls[i])
  {
  }

  lemma Swap(R: State -> bool, s: State, t: Tid, n: Id, b: Nibble, x: Id, cell: Cell, gone: seq<Id>) returns (u: State)
    requires In(R, s) && t in s.calls && s.calls[t].pc.Choose?
    requires s.calls[t].pc.node == n && Below(s, n, s.calls[t].key, b)
    requires x !in s.cells && x !in s.info && x !in s.uncommitted && TurnOf(s, t) == Put(cell, gone)
    ensures u == Swapped(s, t, n, b, x, cell, gone) && In(R, u)
  {
    var v := Apply(s, DoChoose(t, x));
    assert v == Publish(s, t, n, b, x, cell, gone);
    CommitPublished(s, t, n, b, x, cell, gone, v);
    u := CommitOn(R, v, t);
  }

  lemma CommitOn(R: State -> bool, s: State, t: Tid) returns (u: State)
    requires In(R, s) && t in s.calls && s.calls[t].pc.Commit?
    requires s.calls[t].pc.published in s.cells && s.calls[t].pc.published in s.info
    ensures u == CommitStep(s, t) && In(R, u)
  {
    u := Apply(s, DoCommit(t));
  }

  lemma CommitPublished(s: State, t: Tid, n: Id, b: Nibble, x: Id, cell: Cell, gone: seq<Id>, v: State)
    requires t in s.calls && n in s.cells && n in s.info && n != x && x !in s.uncommitted && s.dead == {}
    requires v == Publish(s, t, n, b, x, cell, gone)
    ensures CommitStep(v, t) == Swapped(s, t, n, b, x, cell, gone)
  {
    assert v.uncommitted - {x} == s.uncommitted;
    CommittedInfo(s.info[n := s.info[n].(kids := v.info[n].kids)], x, v.info[x], Info(s.active, NEVER, |cell.slots|));
    MovedTwice(s.calls, t, Commit(x, gone), if gone == [] then Visit(x) else Stamp(gone, Some(x)));
    assert Alive(v, x);
  }

  lemma MovedTwice(calls: map<Tid, Call>, t: Tid, pc: Pc, next: Pc)
    requires t in calls
    ensures var v := calls[t := calls[t].(pc := pc)]; v[t := v[t].(pc := next)] == calls[t := calls[t].(pc := next)]
  {
  }

  lemma CommittedInfo(info: map<Id, Info>, x: Id, made: Info, committed: Info)
    ensures info[x := made][x := committed] == info[x := committed]
  {
  }

  lemma PutLeaf(R: State -> bool, s: State, t: Tid, key: Key, n: Id, b: Nibble, x: Id) returns (u: State)
    requires In(R, s) && At(s, t, key, false, Choose(n, None)) && Below(s, n, key, b) && b !in s.cells[n].slots
    requires x !in s.cells && x !in s.info && x !in s.uncommitted
    ensures u == Swapped(s, t, n, b, x, Cell(key, Some(BLANK), map[]), []) && In(R, u)
  {
    u := Swap(R, s, t, n, b, x, Cell(key, Some(BLANK), map[]), []);
  }

  lemma PutJoin(R: State -> bool, s: State, t: Tid, key: Key, n: Id, b: Nibble, c: Id, m: nat, x: Id) returns (u: State)
    requires In(R, s) && At(s, t, key, false, Choose(n, Some(c))) && Below(s, n, key, b) && SlotHolds(s, n, b, c)
    requires c in s.cells && c in s.info && m == MatchLen(s.cells[c].prefix, key) < |s.cells[c].prefix|
    requires x !in s.cells && x !in s.info && x !in s.uncommitted
    ensures u == Swapped(s, t, n, b, x, Cell(key[..m], None, map[s.cells[c].prefix[m] := c]), []) && In(R, u)
  {
    u := Swap(R, s, t, n, b, x, Cell(key[..m], None, map[s.cells[c].prefix[m] := c]), []);
  }

  /** The call has seen child `c` of an older layer, still in its slot, that prefixes its key. */
  predicate AtOlder(s: State, t: Tid, key: Key, collect: bool, n: Id, b: Nibble, c: Id) {
    && At(s, t, key, collect, Choose(n, Some(c))) && Below(s, n, key, b) && SlotHolds(s, n, b, c)
    && c in s.cells && c in s.info && s.cells[c].prefix <= key && s.info[c].layer != s.active
  }

  lemma WholeMatch(p: Key, key: Key)
    requires p <= key
    ensures MatchLen(p, key) == |p|
  {
    MatchLenAtLeast(p, key, |p|);
  }

  lemma CutLeaf(R: State -> bool, s: State, t: Tid, key: Key, n: Id, b: Nibble, c: Id, x: Id) returns (u: State)
    requires In(R, s) && x !in s.cells && AtOlder(s, t, key, true, n, b, c)
    requires s.info[c].kids == 0 && !IsActiveLeaf(s, c)
    ensures u == Unlink(s, t, n, b, [c]) && In(R, u)
  {
    WholeMatch(s.cells[c].prefix, key);
    assert Walk(s, c) == [c];
    u := Apply(s, DoChoose(t, x));
  }

  lemma StampOnly(R: State -> bool, s: State, t: Tid, key: Key, collect: bool, z: Id, next: Option<Id>)
    returns (u: State)
    requires In(R, s) && At(s, t, key, collect, Stamp([z], next)) && z in s.cells && z in s.info
    ensures u == SetPc(s.(info := s.info[z := s.info[z].(superseded := s.active)], doomed := s.doomed - {z}), t,
                       if next.Some? then Visit(next.value) else Returned)
    ensures In(R, u)
  {
    u := Apply(s, DoStamp(t));
  }

  lemma Bump(R: State -> bool, s: State, r: Id, x: Id) returns (u: State)
    requires In(R, s) && Quiet(s) && x !in s.cells && s.active + 1 < NEVER
    requires |s.rootIds| == s.active + 1 && r == s.rootIds[s.active] && r in s.cells && r in s.info
    ensures u == BumpStep(s, x) && In(R, u)
    ensures |u.rootIds| == u.active + 1 && u.rootIds[u.active] == x
  {
    u := Apply(s, DoBump(x));
  }

  /** A call begins and looks into its slot of the root. */
  lemma StartLoad(R: State -> bool, s: State, t: Tid, key: Key, collect: bool, r: Id, b: Nibble) returns (u: State)
    requires In(R, s) && t !in s.calls && |key| == s.K && s.active < |s.rootIds|
    requires r == s.rootIds[s.active] && Below(s, r, key, b)
    ensures u == s.(calls := s.calls[t := Call(key, collect, Loaded(s, r, b))]) && In(R, u)
  {
    u := Start(R, s, t, key, collect);
    u := Load(R, u, t, key, collect, r, b);
  }

  /** The state after a new leaf with entry `e` was put into slot `b` of `n`. */
  function Grown(s: State, t: Tid, key: Key, n: Id, b: Nibble, x: Id, e: Entry): State
    requires n in s.cells && n in s.info
  {
    s.(cells := SetSlot(s.cells, n, b, x)[x := Cell(key, Some(e), map[])],
       info := s.info[n := s.info[n].(kids := s.info[n].kids + 1)][x := Info(s.active, NEVER, 0)],
       calls := s.calls[t := Call(key, false, Returned)])
  }

  lemma PutWrite(R: State -> bool, s: State, t: Tid, key: Key, n: Id, b: Nibble, x: Id, e: Entry) returns (u: State)
    requires In(R, s) && At(s, t, key, false, Choose(n, None)) && Below(s, n, key, b) && b !in s.cells[n].slots
    requires x !in s.cells && x !in s.info && s.uncommitted == map[] && s.doomed == map[]
    ensures u == Grown(s, t, key, n, b, x, e) && In(R, u)
  {
    u := PutLeaf(R, s, t, key, n, b, x);
    u := Write(R, u, t, x, key, e);
    assert u.doomed == s.doomed;
  }

  /** The state after node `c` was replaced by its copy `x` and stamped. */
  function Replaced(s: State, t: Tid, key: Key, collect: bool, n: Id, b: Nibble, c: Id, x: Id): State
    requires n in s.cells && n in s.info && c in s.cells && c in s.info
  {
    s.(cells := SetSlot(s.cells, n, b, x)[x := s.cells[c]],
       info := s.info[x := Info(s.active, NEVER, |s.cells[c].slots|)][c := s.info[c].(superseded := s.active)],
       calls := s.calls[t := Call(key, collect, Visit(x))])
  }

  lemma CopyStamp(R: State -> bool, s: State, t: Tid, key: Key, collect: bool, n: Id, b: Nibble, c: Id, x: Id)
    returns (u: State)
    requires In(R, s) && AtOlder(s, t, key, collect, n, b, c) && Walk(s, c) == [c] && c != n
    requires s.info[c].kids > 0 || IsActiveLeaf(s, c)
    requires x !in s.cells && x !in s.info && s.uncommitted == map[] && s.doomed == map[]
    ensures u == Replaced(s, t, key, collect, n, b, c, x) && In(R, u)
  {
    WholeMatch(s.cells[c].prefix, key);
    u := Swap(R, s, t, n, b, x, s.cells[c], [c]);
    u := StampOnly(R, u, t, key, collect, c, Some(x));
    StampedCopy(s, t, key, collect, n, b, c, x);
  }

  lemma StampedCopy(s: State, t: Tid, key: Key, collect: bool, n: Id, b: Nibble, c: Id, x: Id)
    requires At(s, t, key, collect, Choose(n, Some(c))) && n in s.cells && n in s.info && c in s.cells && c in s.info
    requires b in s.cells[n].slots && c != n && x !in s.info && s.doomed == map[]
    ensures var v := Swapped(s, t, n, b, x, s.cells[c], [c]);
      SetPc(v.(info := v.info[c := v.info[c].(superseded := v.active)], doomed := v.doomed - {c}), t, Visit(x))
        == Replaced(s, t, key, collect, n, b, c, x)
  {
    var v := Swapped(s, t, n, b, x, s.cells[c], [c]);
    assert v.doomed - {c} == map[];
    RestampedInfo(s.info, s.info[n], n, c, x, Info(s.active, NEVER, |s.cells[c].slots|), s.active);
  }

  lemma RestampedInfo(info: map<Id, Info>, same: Info, n: Id, c: Id, x: Id, new': Info, layer: nat)
    requires n in info && c in info && x !in info && info[n] == same
    ensures var v := info[n := same][x := new'];
      v[c := v[c].(superseded := layer)] == info[x := new'][c := info[c].(superseded := layer)]
  {
  }

  lemma CutStamp(R: State -> bool, s: State, t: Tid, key: Key, n: Id, b: Nibble, c: Id, x: Id) returns (u: State)
    requires In(R, s) && x !in s.cells && AtOlder(s, t, key, true, n, b, c)
    requires s.info[c].kids == 0 && !IsActiveLeaf(s, c)
    requires s.doomed == map[] && c != n && s.info[n].kids > 0
    ensures In(R, u) && u == s.(
      cells := s.cells[n := s.cells[n].(slots := s.cells[n].slots - {b})],
      info := s.info[n := s.info[n].(kids := s.info[n].kids - 1)][c := s.info[c].(superseded := s.active)],
      calls := s.calls[t := Call(key, true, Returned)])
  {
    u := CutLeaf(R, s, t, key, n, b, c, x);
    u := StampOnly(R, u, t, key, true, c, None);
    assert u.doomed == s.doomed;
  }

  // ----- an insert that throws -----

  const LEFT: Key := [0, 0]
  const RIGHT: Key := [0, 1]
  const ON := Entry([], 0, true)
  const OFF := Entry([], 0, false)

  function Empty(): State {
    State(2, map[0 := Cell([], None, map[])], map[0 := Info(0, NEVER, 0)],
          [0], map[0 := 0], 0, 0, map[], map[], map[], Idle, 0, {}, NoFault)
  }

  /** The nodes so far are `0` to `size - 1`, the calls `0` to `calls - 1`, and no commit is outstanding. */
  ghost predicate Sized(s: State, size: nat, calls: nat) {
    && s.K == 2 && s.uncommitted == map[] && s.doomed == map[]
    && (forall n :: n in s.cells <==> 0 <= n < size) && s.info.Keys == s.cells.Keys
    && (forall t :: t in s.calls <==> 0 <= t < calls)
  }

  /** The root of the active layer is `r`, and its one child is `c`, in slot 0. */
  ghost predicate Rooted(s: State, active: nat, r: Id, c: Id) {
    && s.active == active && |s.rootIds| == active + 1 && s.rootIds[s.active] == r
    && r in s.cells && r in s.info && s.cells[r] == Cell([], None, map[0 := c])
  }

  /** The left key is on, in node `1`. */
  ghost predicate LeftIsOn(s: State) {
    1 in s.cells && s.cells[1] == Cell(LEFT, Some(ON), map[]) && 1 in s.info && s.info[1] == Info(0, NEVER, 0)
  }

  ghost predicate WithLeft(s: State) {
    && Sized(s, 2, 1) && Rooted(s, 0, 0, 1) && LeftIsOn(s) && Quiet(s)
    && s.info[0] == Info(0, NEVER, 1) && s.roots == map[0 := 0] && s.lowerBound == 0
  }

  lemma InsertLeft(R: State -> bool) returns (u: State)
    requires In(R, Empty())
    ensures WithLeft(u) && In(R, u)
  {
    u := StartLoad(R, Empty(), 0, LEFT, false, 0, 0);
    u := PutWrite(R, u, 0, LEFT, 0, 0, 1, ON);
  }

  /** Node `n` is the branch above both keys; the right one, off, is in node `3`. */
  ghost predicate BothBelow(s: State, n: Id, layer: nat) {
    && n in s.cells && s.cells[n] == Cell([0], None, map[0 := 1, 1 := 3]) && n in s.info
      && s.info[n] == Info(layer, NEVER, 2)
    && 3 in s.cells && s.cells[3] == Cell(RIGHT, Some(OFF), map[]) && 3 in s.info && s.info[3] == Info(0, NEVER, 0)
  }

  ghost predicate WithBoth(s: State) {
    Sized(s, 4, 2) && Rooted(s, 0, 0, 2) && LeftIsOn(s) && BothBelow(s, 2, 0) && Quiet(s)
  }

  lemma KeysPart()
    ensures MatchLen(LEFT, RIGHT) == 1 && RIGHT[..1] == [0]
  {
    assert LEFT[..1] == RIGHT[..1];
    MatchLenUnique(LEFT, RIGHT, 1);
  }

  ghost predicate WithJoin(s: State) {
    && Sized(s, 3, 2) && Rooted(s, 0, 0, 2) && LeftIsOn(s)
    && s.cells[2] == Cell([0], None, map[0 := 1]) && 2 in s.info && s.info[2] == Info(0, NEVER, 1)
    && At(s, 1, RIGHT, false, Visit(2)) && Done(s.calls[0])
  }

  lemma JoinRight(R: State -> bool, s: State) returns (u: State)
    requires In(R, s) && WithLeft(s)
    ensures WithJoin(u) && In(R, u)
  {
    KeysPart();
    var v := StartLoad(R, s, 1, RIGHT, false, 0, 0);
    u := PutJoin(R, v, 1, RIGHT, 0, 0, 1, 1, 2);
    Joined(v, u);
  }

  lemma Joined(v: State, u: State)
    requires Sized(v, 2, 2) && Rooted(v, 0, 0, 1) && LeftIsOn(v)
    requires Done(v.calls[0]) && v.calls[1].key == RIGHT && !v.calls[1].collect
    requires u == Swapped(v, 1, 0, 0, 2, Cell([0], None, map[0 := 1]), [])
    ensures WithJoin(u)
  {
    SwappedFacts(v, 1, 0, 0, 2, Cell([0], None, map[0 := 1]), []);
    assert v.cells[0].slots[0 := 2] == map[0 := 2];
    assert u.cells[0] == Cell([], None, map[0 := 2]) && u.cells[1] == v.cells[1] && u.info[1] == v.info[1];
    assert Sized(u, 3, 2) && Rooted(u, 0, 0, 2);
    assert At(u, 1, RIGHT, false, Visit(2)) && u.calls[0] == v.calls[0];
  }

  lemma InsertRight(R: State -> bool, s: State) returns (u: State)
    requires In(R, s) && WithJoin(s)
    ensures WithBoth(u) && In(R, u)
  {
    u := Load(R, s, 1, RIGHT, false, 2, 1);
    u := PutWrite(R, u, 1, RIGHT, 2, 1, 3, OFF);
    assert u.cells[2].slots == map[0 := 1, 1 := 3];
  }

  ghost predicate NextLayer(s: State) {
    Sized(s, 5, 2) && Rooted(s, 1, 4, 2) && LeftIsOn(s) && BothBelow(s, 2, 0) && Quiet(s)
  }

  ghost predicate Copied(s: State) {
    && Sized(s, 6, 3) && Rooted(s, 1, 4, 5) && LeftIsOn(s) && BothBelow(s, 5, 1)
    && At(s, 2, RIGHT, true, Visit(5)) && Done(s.calls[0]) && Done(s.calls[1])
  }

  lemma CopyBranch(R: State -> bool, s: State) returns (u: State)
    requires In(R, s) && NextLayer(s)
    ensures Copied(u) && In(R, u)
  {
    var v := StartLoad(R, s, 2, RIGHT, true, 4, 0);
    assert Walk(v, 2) == [2];
    u := CopyStamp(R, v, 2, RIGHT, true, 4, 0, 2, 5);
    BranchCopied(v, u);
  }

  lemma BranchCopied(v: State, u: State)
    requires Sized(v, 5, 3) && Rooted(v, 1, 4, 2) && LeftIsOn(v) && BothBelow(v, 2, 0)
    requires Done(v.calls[0]) && Done(v.calls[1]) && u == Replaced(v, 2, RIGHT, true, 4, 0, 2, 5)
    ensures Copied(u)
  {
    assert v.cells[4].slots[0 := 5] == map[0 := 5];
  }

  /** The branch is a one-child chain in layer `1`. */
  ghost predicate Collected(s: State) {
    && LeftIsOn(s) && 5 in s.cells && s.cells[5] == Cell([0], None, map[0 := 1])
    && 5 in s.info && s.info[5] == Info(1, NEVER, 1) && Quiet(s)
  }

  lemma CollectRight(R: State -> bool, s: State) returns (u: State)
    requires In(R, s) && Copied(s)
    ensures Sized(u, 6, 3) && Rooted(u, 1, 4, 5) && Collected(u) && In(R, u)
  {
    u := Load(R, s, 2, RIGHT, true, 5, 1);
    u := CutStamp(R, u, 2, RIGHT, 5, 1, 3, 6);
    assert u.cells[5].slots == map[0 := 1];
  }

  lemma ChainToLeft(s: State)
    requires s.K == 2 && LeftIsOn(s) && 5 in s.cells && s.cells[5] == Cell([0], None, map[0 := 1])
    requires 5 in s.info && s.info[5].kids == 1
    ensures Walk(s, 5) == [5, 1]
  {
    assert Lowest(s.cells[5].slots, 0) == Some(1);
    assert Walk(s, 1) == [1];
  }

  lemma BumpBoth(R: State -> bool, s: State) returns (u: State)
    requires In(R, s) && WithBoth(s)
    ensures NextLayer(u) && In(R, u)
  {
    u := Bump(R, s, 0, 4);
  }

  lemma BumpCollected(R: State -> bool, s: State) returns (u: State)
    requires In(R, s) && Sized(s, 6, 3) && Rooted(s, 1, 4, 5) && Collected(s)
    ensures Sized(u, 7, 3) && Rooted(u, 2, 6, 5) && Collected(u) && In(R, u)
  {
    u := Bump(R, s, 4, 6);
  }

  /** In the state so reached the right key is trapped at node `5`. */
  lemma RightIsTrapped(s: State)
    requires Sized(s, 7, 3) && Rooted(s, 2, 6, 5) && Collected(s)
    ensures Trapped(s, RIGHT)
  {
    ChainToLeft(s);
    assert LEFT[1] != RIGHT[1];
    assert TrapAt(s, RIGHT, 5);
  }

  lemma TrapRight(R: State -> bool) returns (u: State)
    requires In(R, Empty())
    ensures In(R, u) && Sized(u, 7, 3) && Rooted(u, 2, 6, 5) && Collected(u)
  {
    u := InsertLeft(R);
    u := JoinRight(R, u);
    u := InsertRight(R, u);
    u := BumpBoth(R, u);
    u := CopyBranch(R, u);
    u := CollectRight(R, u);
    u := BumpCollected(R, u);
  }

  /**
   Not every insert returns: a trie with keys of two nibbles, three layers and one
   thread at a time suffices.
   */
  lemma InsertCanThrow() returns (s: State, run: seq<Step>, u: State, t: Tid)
    ensures Init(s, 2) && Executes(s, run, u)
    ensures t in u.calls && !u.calls[t].collect && u.calls[t].pc == Threw
  {
    s, t := Empty(), 3;
    var R := v => Arrives(s, v);
    ArrivesIsClosed(s);
    assert Executes(s, [], s);
    var v := TrapRight(R);
    RightIsTrapped(v);
    var before :| Executes(s, before, v);
    run, u := ThrowFromTrap(s, before, v, t);
  }

  /** From a trapped key to a call that has thrown. */
  lemma ThrowFromTrap(s: State, before: seq<Step>, v: State, t: Tid) returns (run: seq<Step>, u: State)
    requires Init(s, 2) && Executes(s, before, v) && Trapped(v, RIGHT) && Enabled(v, DoBegin(t, RIGHT, false))
    ensures Executes(s, run, u) && t in u.calls && !u.calls[t].collect && u.calls[t].pc == Threw
  {
    InitInv(s, 2);
    RunInv(s, before, v);
    var more;
    more, u := TrappedThrows(v, t, RIGHT, false);
    var rest := [DoBegin(t, RIGHT, false)] + more;
    assert rest[1..] == more;
    ExecutesConcat(s, before, v, rest, u);
    run := before + rest;
  }

  // ----- an early sweep -----

  /** The left key was copied into layer `1` by call `2`, while call `1` still looks at the old node. */
  ghost predicate Racing(s: State) {
    && s.K == 2 && s.active == 1 && s.sweep == Idle && s.dead == {} && s.fault == NoFault
    && s.lowerBound == 0 && s.roots == map[0 := 0, 1 := 2]
    && {0, 1, 2} <= s.cells.Keys && {0, 1, 2} <= s.info.Keys && 4 !in s.cells
    && s.cells[0] == Cell([], None, map[0 := 1]) && s.info[0].superseded == 1
    && s.info[1].superseded == 1 && s.cells[2].prefix == []
    && At(s, 1, LEFT, false, Choose(2, Some(1)))
  }

  lemma Race(R: State -> bool) returns (u: State)
    requires In(R, Empty())
    ensures In(R, u) && Racing(u)
  {
    u := InsertLeft(R);
    u := Bump(R, u, 0, 2);
    u := StartLoad(R, u, 1, LEFT, false, 2, 0);
    var v := StartLoad(R, u, 2, LEFT, false, 2, 0);
    assert Walk(v, 1) == [1];
    u := CopyStamp(R, v, 2, LEFT, false, 2, 0, 1, 3);
  }

  /** The sweep destroys the old root and the old leaf, and then the waiting call reads the leaf. */
  lemma RaceIsLost(s: State)
    requires Racing(s)
    ensures NextRoot(RaiseStep(s, 0), 0)
    ensures var e := EraseStep(RaiseStep(s, 0), 0);
      && e.fault == NoFault && e.sweep.Sweeping? && |e.sweep.stack| > 0
      && var d := DestructStep(e);
      && Enabled(d, DoChoose(1, 4)) && ChooseStep(d, 1, 4).fault == UseAfterFree
  {
    assert FreeBound(0, 1) == 0;
    var e := EraseStep(RaiseStep(s, 0), 0);
    assert e.sweep == Sweeping(0, [Frame(0, 0, 1)], false) && e.dead == {0};
    LeafGoes(e);
    var d := DestructStep(e);
    assert TurnOf(d, 1) == Crash;
  }

  /** The destructor of the old root takes the old leaf with it. */
  lemma LeafGoes(e: State)
    requires e.sweep == Sweeping(0, [Frame(0, 0, 1)], false) && e.dead == {0} && e.K == 2
    requires {0, 1} <= e.cells.Keys && {0, 1} <= e.info.Keys
    requires e.cells[0] == Cell([], None, map[0 := 1]) && e.info[1].superseded == 1
    ensures var d := DestructStep(e);
      1 in d.dead && d.fault == e.fault && d.cells == e.cells && d.info == e.info && d.calls == e.calls && 2 !in d.dead
  {
    var on := e.(sweep := e.sweep.(stack := [Frame(0, 1, 1)]));
    assert e.sweep.stack[..0] + [Frame(0, 1, 1)] == [Frame(0, 1, 1)] && Alive(on, 1);
    assert DestructStep(e) == Destroy(on, 1);
    assert Destroy(on, 1).dead == {0} + {1};
  }

  /**
   With one layer above zero and a bound of zero the sweep leaves the active root
   alone, but not what the active layer still uses.
   */
  lemma EarlyRaiseRaces() returns (z: State, run: seq<Step>, s: State)
    ensures Init(z, 2) && Executes(z, run, s) && s.active == 1 && s.sweep.Idle?
    ensures NextRoot(RaiseStep(s, 0), 0)
    ensures var e := EraseStep(RaiseStep(s, 0), 0);
      && e.fault == NoFault && e.sweep.Sweeping? && |e.sweep.stack| > 0
      && var d := DestructStep(e);
      && Enabled(d, DoChoose(1, 4)) && ChooseStep(d, 1, 4).fault == UseAfterFree
  {
    z := Empty();
    var R := v => Arrives(z, v);
    ArrivesIsClosed(z);
    assert Executes(z, [], z);
    s := Race(R);
    RaceIsLost(s);
    run :| Executes(z, run, s);
  }
}
