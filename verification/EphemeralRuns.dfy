/**
 What the invariants of the ephemeral trie mean for whole runs.
 */
module EphemeralRuns {

  import opened Nibbles
  import opened Tries
  import opened SearchTrees
  import opened EphemeralTrie
  import opened EphemeralSafety

  lemma ChooseInv(s: State, t: Tid, x: Id, e: Entry)
    requires Inv(s) && Enabled(s, DoChoose(t, x, e))
    ensures Inv(ChooseStep(s, t, x, e))
  {
    var n, seen, key := s.calls[t].pc.node, s.calls[t].pc.seen, s.calls[t].key;
    var b := key[|s.cells[n].prefix|];
    assert CallOk(s, t);
    if seen.None? {
      PublishInv(s, t, n, b, x, e);
    } else {
      var word := seen.value;
      var q := s.cells[word.handle].prefix;
      if q <= key {
        RecurseInv(s, t, word.handle);
      } else {
        SplitIsJoin(s, t, n, b, x, word);
        var join := MatchLen(q, key);
        SplitInv(s, t, n, b, x, word, key[..join], q[join]);
      }
    }
  }

  lemma SplitIsJoin(s: State, t: Tid, n: Id, b: Nibble, x: Id, word: Slot)
    requires CallOk(s, t) && SizesOk(s) && CanChoose(s, t, x) && s.calls[t].pc == Choose(n, Some(word))
    requires b == s.calls[t].key[|s.cells[n].prefix|] && !(s.cells[word.handle].prefix <= s.calls[t].key)
    requires TreeOk(s)
    ensures
      var q, key := s.cells[word.handle].prefix, s.calls[t].key;
      var join := MatchLen(q, key);
      join < |q| && join < |key| && Splitting(s, t, n, b, x, word, key[..join], q[join])
  {
    var q, key := s.cells[word.handle].prefix, s.calls[t].key;
    var join := MatchLen(q, key);
    assert SlotOk(s, n, b);
    assert Local(s.cells, s.cells.Keys, s.K, word.handle);
    JoinLength(s.cells[n].prefix, b, q, key);
    assert key[..join] == q[..join];
  }

  lemma StepInv(s: State, step: Step)
    requires Inv(s) && Enabled(s, step)
    ensures Inv(Apply(s, step))
  {
    match step
    case DoInsert(t, key) => BeginInv(s, t, key, ROOT);
    case DoVisit(t, e) => VisitInv(s, t, e);
    case DoReload(t) =>
      assert CallOk(s, t);
      LoadInv(s, t, s.calls[t].pc.node);
    case DoChoose(t, x, e) => ChooseInv(s, t, x, e);
    case DoClimb(t) => ClimbInv(s, t);
    case DoLookup(t, key) => BeginInv(s, t, key, ROOT);
    case DoSeek(t) => SeekInv(s, t);
  }

  lemma {:induction false} RunInv(s: State, run: seq<Step>, u: State)
    requires Inv(s) && Executes(s, run, u)
    ensures Inv(u)
    decreases |run|
  {
    if run != [] {
      StepInv(s, run[0]);
      RunInv(Apply(s, run[0]), run[1..], u);
    }
  }

  /**
   Conservation: in every reachable state, the size stored in a slot plus the
   number of keys below it that are still to be counted there is the number of
   leaves below it, whatever splits copied the word meanwhile.
   */
  lemma SizeIsConserved(s: State, K: nat, run: seq<Step>, u: State, n: Id, b: Nibble)
    requires Init(s, K) && Executes(s, run, u) && n in u.cells && b in u.cells[n].slots
    ensures SizeAt(u, n, b) + |Waiting(u, n, b)| == |Below(u, n, b)|
    ensures SizeAt(u, n, b) < HALF
  {
    InitInv(s, K);
    RunInv(s, run, u);
    assert SlotOk(u, n, b);
    FewLeaves(u, n, b);
  }

  // ----- winners -----

  /** No call is in flight. */
  predicate Quiet(s: State) {
    forall t | t in s.calls :: var pc := s.calls[t].pc; pc.Done? || pc.Found? || pc.Missing? || pc.Threw?
  }

  /** Of all calls that insert one key, one publishes it; it is the one that returns true. */
  lemma OneWinner(s: State, K: nat, run: seq<Step>, u: State, t: Tid)
    requires Init(s, K) && Executes(s, run, u) && t in u.calls && u.calls[t].pc.Done?
    ensures var key := u.calls[t].key;
      && key in u.published
      && var w := u.published[key].tid;
      && w in u.calls && u.calls[w].key == key && Won(u.calls[w].pc)
      && (forall i | i in u.calls && u.calls[i].key == key && Won(u.calls[i].pc) :: i == w)
      && (Quiet(u) ==> u.calls[w].pc == Done(true))
  {
    InitInv(s, K);
    RunInv(s, run, u);
    assert CallOk(u, t);
    assert WinOk(u, u.calls[t].key);
    forall i | i in u.calls && u.calls[i].key == u.calls[t].key && Won(u.calls[i].pc)
      ensures i == u.published[u.calls[t].key].tid
    {
      assert CallOk(u, i);
    }
  }

  /**
   No assertion of `insert` fails, and every call in flight can take a step.  In the
   loop, a swap whose expected word is still there is in order with any new handle.
   */
  lemma NeverStuck(s: State, K: nat, run: seq<Step>, u: State, t: Tid)
    requires Init(s, K) && Executes(s, run, u) && t in u.calls
    ensures match u.calls[t].pc
      case Visit(_) => forall e :: Enabled(u, DoVisit(t, e))
      case Choose(n, seen) =>
        && Enabled(u, DoReload(t))
        && (seen == Load(u, n, u.calls[t].key[|u.cells[n].prefix|]) ==>
              forall x: Id, e | x !in u.cells && x < NULL :: Enabled(u, DoChoose(t, x, e)))
      case Climb(_) => Enabled(u, DoClimb(t))
      case Seek(_) => Enabled(u, DoSeek(t))
      case Threw => false
      case _ => true
  {
    InitInv(s, K);
    RunInv(s, run, u);
    assert CallOk(u, t);
    if u.calls[t].pc.Climb? && |u.cells[u.calls[t].pc.node].prefix| < u.K {
      WayIsOpen(u, t, u.calls[t].pc.node);
    }
  }

  // ----- lookups -----

  /**
   A lookup on the way of its key leaves that way, by an empty slot or by a node that
   does not prefix the key, only in a state in which the key is not published; off
   the way it can only miss; and what it finds is the leaf of the key.
   */
  lemma SeekAnswers(s: State, t: Tid)
    requires Inv(s) && Enabled(s, DoSeek(t))
    ensures var n, key, pc := s.calls[t].pc.node, s.calls[t].key, SeekStep(s, t).calls[t].pc;
      if s.cells[n].prefix <= key then
        match pc
        case Seek(c) => c in s.cells && (s.cells[c].prefix <= key || key !in s.published)
        case Found(x) => key in s.published && x == s.published[key].leaf
        case _ => pc.Missing? && key !in s.published
      else pc.Missing?
  {
    var n, key := s.calls[t].pc.node, s.calls[t].key;
    assert CallOk(s, t);
    assert Local(s.cells, s.cells.Keys, s.K, n);
    if key in s.published {
      assert WinOk(s, key);
      assert Leads(s.cells, n, s.published[key].leaf);
    }
    if SeekStep(s, t).calls[t].pc.Found? {
      assert s.cells[n].prefix == key;
      assert LeafOk(s, n);
    }
  }

  /** Nodes keep their prefixes, published keys stay published, other calls stay where they are. */
  ghost predicate Grows(s: State, u: State) {
    && u.K == s.K
    && (forall n | n in s.cells :: n in u.cells && u.cells[n].prefix == s.cells[n].prefix)
    && (forall k | k in s.published :: k in u.published && u.published[k] == s.published[k])
  }

  lemma StepGrows(s: State, step: Step)
    requires Inv(s) && Enabled(s, step)
    ensures Grows(s, Apply(s, step))
  {
    if step.DoChoose? && s.calls[step.t].pc.seen.None? {
      var n := s.calls[step.t].pc.node;
      assert CallOk(s, step.t);
      KeyIsNew(s, step.t, n, s.calls[step.t].key[|s.cells[n].prefix|], step.x);
    }
  }

  lemma OthersStay(s: State, step: Step, t: Tid)
    requires Enabled(s, step) && t in s.calls && step.t != t
    ensures t in Apply(s, step).calls && Apply(s, step).calls[t] == s.calls[t]
  {
  }

  /** The lookup `t` is for a published key and still on the way to its leaf, or there. */
  ghost predicate OnWay(s: State, t: Tid, key: Key) {
    && t in s.calls && s.calls[t].key == key && key in s.published
    && match s.calls[t].pc
       case Seek(n) => n in s.cells && s.cells[n].prefix <= key
       case Found(x) => x == s.published[key].leaf
       case _ => false
  }

  lemma SeekStaysOnWay(s: State, t: Tid, key: Key)
    requires Inv(s) && Enabled(s, DoSeek(t)) && OnWay(s, t, key)
    ensures OnWay(SeekStep(s, t), t, key)
  {
    SeekAnswers(s, t);
    var n := s.calls[t].pc.node;
    assert WinOk(s, key);
    assert Leads(s.cells, n, s.published[key].leaf);
  }

  lemma {:induction false} RunStaysOnWay(s: State, run: seq<Step>, u: State, t: Tid, key: Key)
    requires Inv(s) && Executes(s, run, u) && OnWay(s, t, key)
    ensures OnWay(u, t, key)
    decreases |run|
  {
    if run != [] {
      StepInv(s, run[0]);
      StepGrows(s, run[0]);
      if run[0].t == t {
        SeekStaysOnWay(s, t, key);
      } else {
        OthersStay(s, run[0], t);
      }
      RunStaysOnWay(Apply(s, run[0]), run[1..], u, t, key);
    }
  }

  /**
   A lookup that starts after its key was published finds it, however inserts,
   splits and size updates interleave with its steps.
   */
  lemma PublishedIsFound(z: State, K: nat, before: seq<Step>, s: State, t: Tid, key: Key, after: seq<Step>, u: State)
    requires Init(z, K) && Executes(z, before, s) && key in s.published
    requires Enabled(s, DoLookup(t, key)) && Executes(Apply(s, DoLookup(t, key)), after, u)
    ensures key in u.published && t in u.calls
    ensures !u.calls[t].pc.Missing?
    ensures u.calls[t].pc.Found? ==>
      u.calls[t].pc.leaf in u.cells && u.cells[u.calls[t].pc.leaf].prefix == key
  {
    InitInv(z, K);
    RunInv(z, before, s);
    StepInv(s, DoLookup(t, key));
    RunStaysOnWay(Apply(s, DoLookup(t, key)), after, u, t, key);
    assert WinOk(u, key) by { RunInv(Apply(s, DoLookup(t, key)), after, u); }
  }
}
