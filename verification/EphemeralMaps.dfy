/**
 What the ephemeral trie stores, and what its calls answer.

 The trie refines one map: a run amounts to its successful publications and its
 leaf writes, carried out one after the other with the arguments of the calls.  A
 call that is left alone ends within a number of steps that is linear in the
 length of the key.
 */
module EphemeralMaps {

  import opened Nibbles
  import opened Tries
  import opened SearchTrees
  import opened EphemeralTrie
  import opened EphemeralSafety
  import opened EphemeralRuns
  import opened EphemeralShape

  /** The map that the published nodes denote. */
  ghost function MapOf(s: State): map<Key, Entry>
    requires TreeOk(s) && ROOT in s.cells
  {
    Contents(TreeOf(s.cells, s.cells.Keys, ROOT, s.K, ROOT))
  }

  /** The entry a leaf of the state holds for a key. */
  ghost function EntryOf(s: State, k: Key): Option<Entry>
    requires Inv(s)
  {
    if k in s.published then
      assert WinOk(s, k);
      s.cells[s.published[k].leaf].entry
    else None
  }

  /** Lookups find the entries of the published leaves. */
  lemma LookupIsEntry(s: State, k: Key)
    requires Inv(s)
    ensures ROOT in s.cells
    ensures var t := TreeOf(s.cells, s.cells.Keys, ROOT, s.K, ROOT);
      WellFormed(t, s.K) && Get(t, k) == EntryOf(s, k)
  {
    var c, T := s.cells, s.cells.Keys;
    TreeWellFormed(c, T, ROOT, s.K, ROOT);
    if k in s.published {
      assert WinOk(s, k);
      LeafIsFound(c, T, ROOT, s.K, ROOT, s.published[k].leaf);
    }
    if Get(TreeOf(c, T, ROOT, s.K, ROOT), k).Some? {
      var x := FoundIsLeaf(c, T, ROOT, s.K, ROOT, k);
      assert LeafOk(s, x);
    }
  }

  lemma MapIsEntries(s: State, k: Key)
    requires Inv(s)
    ensures ROOT in s.cells && (k in MapOf(s) <==> k in s.published)
    ensures k in MapOf(s) ==> EntryOf(s, k) == Some(MapOf(s)[k])
  {
    LookupIsEntry(s, k);
    GetFindsLeaves(TreeOf(s.cells, s.cells.Keys, ROOT, s.K, ROOT), s.K, k);
    if k in s.published {
      assert WinOk(s, k);
      var x := s.published[k].leaf;
      assert Local(s.cells, s.cells.Keys, s.K, x);
    }
  }

  // ----- steps -----

  datatype Effect = Nothing | Write(key: Key, entry: Entry)

  /** What the arguments of a step and the call's position say that it writes. */
  function EffectOf(s: State, step: Step): Effect {
    match step
    case DoVisit(t, e) =>
      if && t in s.calls && s.calls[t].pc.Visit? && s.calls[t].pc.node in s.cells
         && s.cells[s.calls[t].pc.node].prefix == s.calls[t].key
      then Write(s.calls[t].key, e)
      else Nothing
    case DoChoose(t, _, e) =>
      if t in s.calls && s.calls[t].pc.Choose? && s.calls[t].pc.seen == None
      then Write(s.calls[t].key, e)
      else Nothing
    case _ => Nothing
  }

  function Affected(m: map<Key, Entry>, f: Effect): map<Key, Entry> {
    if f.Write? then m[f.key := f.entry] else m
  }

  /** The entry of key `k` changes as the effect says. */
  ghost predicate Writes(s: State, u: State, k: Key, f: Effect) {
    Inv(s) && Inv(u) && EntryOf(u, k) == if f == Nothing || f.key != k then EntryOf(s, k) else Some(f.entry)
  }

  /** Nothing is published, and nodes keep their entries. */
  ghost predicate KeepsEntries(s: State, u: State) {
    u.published == s.published && forall n | n in s.cells :: n in u.cells && u.cells[n].entry == s.cells[n].entry
  }

  lemma KeptEntry(s: State, u: State, k: Key)
    requires Inv(s) && Inv(u) && KeepsEntries(s, u)
    ensures Writes(s, u, k, Nothing)
  {
    if k in s.published { assert WinOk(s, k); }
  }

  lemma VisitWrites(s: State, t: Tid, e: Entry, k: Key)
    requires Inv(s) && Enabled(s, DoVisit(t, e)) && Inv(VisitStep(s, t, e))
    ensures Writes(s, VisitStep(s, t, e), k, EffectOf(s, DoVisit(t, e)))
  {
    var n, key := s.calls[t].pc.node, s.calls[t].key;
    assert CallOk(s, t);
    assert Local(s.cells, s.cells.Keys, s.K, n);
    if s.cells[n].prefix == key {
      assert LeafOk(s, n) && WinOk(s, key);
      assert Leads(s.cells, n, s.published[key].leaf);
      if k in s.published { assert WinOk(s, k); }
    } else {
      KeptEntry(s, VisitStep(s, t, e), k);
    }
  }

  lemma PublishWrites(s: State, t: Tid, n: Id, b: Nibble, x: Id, e: Entry, k: Key)
    requires Inv(s) && Publishing(s, t, n, b, x) && Inv(PublishLeaf(s, t, n, b, x, e))
    ensures Writes(s, PublishLeaf(s, t, n, b, x, e), k, Write(s.calls[t].key, e))
  {
    if k in s.published { assert WinOk(s, k); }
  }

  lemma ChooseWrites(s: State, t: Tid, x: Id, e: Entry, k: Key)
    requires Inv(s) && Enabled(s, DoChoose(t, x, e)) && Inv(ChooseStep(s, t, x, e))
    ensures Writes(s, ChooseStep(s, t, x, e), k, EffectOf(s, DoChoose(t, x, e)))
  {
    var n, key := s.calls[t].pc.node, s.calls[t].key;
    assert CallOk(s, t);
    if s.calls[t].pc.seen.None? {
      PublishWrites(s, t, n, key[|s.cells[n].prefix|], x, e, k);
    } else {
      SwapKeepsEntries(s, t, x, e);
      KeptEntry(s, ChooseStep(s, t, x, e), k);
    }
  }

  lemma SwapKeepsEntries(s: State, t: Tid, x: Id, e: Entry)
    requires Enabled(s, DoChoose(t, x, e)) && s.calls[t].pc.seen.Some?
    ensures KeepsEntries(s, ChooseStep(s, t, x, e))
  {
  }

  lemma ClimbKeepsEntries(s: State, t: Tid)
    requires Enabled(s, DoClimb(t))
    ensures KeepsEntries(s, ClimbStep(s, t))
  {
  }

  lemma StepWrites(s: State, step: Step, k: Key)
    requires Inv(s) && Enabled(s, step) && Inv(Apply(s, step))
    ensures Writes(s, Apply(s, step), k, EffectOf(s, step))
  {
    match step
    case DoVisit(t, e) => VisitWrites(s, t, e, k);
    case DoChoose(t, x, e) => ChooseWrites(s, t, x, e, k);
    case DoClimb(t) =>
      ClimbKeepsEntries(s, t);
      KeptEntry(s, ClimbStep(s, t), k);
    case _ => KeptEntry(s, Apply(s, step), k);
  }

  /**
   One step of the trie is one write of its argument, or none; and a call that
   writes is on its way to answer whether the key is new.
   */
  lemma StepEffect(s: State, step: Step)
    requires Inv(s) && Enabled(s, step)
    ensures Inv(Apply(s, step)) && ROOT in s.cells && ROOT in Apply(s, step).cells
    ensures MapOf(Apply(s, step)) == Affected(MapOf(s), EffectOf(s, step))
    ensures EffectOf(s, step).Write? ==> Answers(s, Apply(s, step), step.t, EffectOf(s, step).key)
  {
    var u, f := Apply(s, step), EffectOf(s, step);
    StepInv(s, step);
    MapIsEntries(s, []);
    MapIsEntries(u, []);
    forall k: Key ensures k in MapOf(u) <==> k in Affected(MapOf(s), f)
      ensures k in MapOf(u) ==> MapOf(u)[k] == Affected(MapOf(s), f)[k]
    {
      StepWrites(s, step, k);
      WrittenMap(s, u, k, f);
    }
    if f.Write? { WriterAnswers(s, step); }
  }

  lemma WrittenMap(s: State, u: State, k: Key, f: Effect)
    requires Writes(s, u, k, f)
    ensures ROOT in s.cells && ROOT in u.cells
    ensures var m := Affected(MapOf(s), f);
      (k in MapOf(u) <==> k in m) && (k in m ==> MapOf(u)[k] == m[k])
  {
    MapIsEntries(s, k);
    MapIsEntries(u, k);
    EntriesAreThere(s, k);
    EntriesAreThere(u, k);
  }

  lemma EntriesAreThere(s: State, k: Key)
    requires Inv(s)
    ensures EntryOf(s, k).Some? <==> k in s.published
  {
    if k in s.published {
      assert WinOk(s, k);
      assert Local(s.cells, s.cells.Keys, s.K, s.published[k].leaf);
    }
  }

  /** The call that writes a key is on its way to answer whether the key was new. */
  ghost predicate Answers(s: State, u: State, t: Tid, key: Key) {
    && TreeOk(s) && ROOT in s.cells && t in u.calls
    && u.calls[t].pc == if key in MapOf(s) then Done(false) else Climb(ROOT)
  }

  lemma WriterAnswers(s: State, step: Step)
    requires Inv(s) && Enabled(s, step) && EffectOf(s, step).Write?
    ensures Answers(s, Apply(s, step), step.t, EffectOf(s, step).key)
  {
    var t := step.t;
    var n, key := s.calls[t].pc.node, s.calls[t].key;
    assert CallOk(s, t);
    MapIsEntries(s, key);
    if step.DoVisit? {
      assert LeafOk(s, n);
    } else {
      KeyIsNew(s, t, n, key[|s.cells[n].prefix|], step.x);
    }
  }

  // ----- whole runs -----

  /** The writes of a run, carried out in order. */
  ghost function Replay(s: State, run: seq<Step>, m: map<Key, Entry>): map<Key, Entry>
    decreases |run|
  {
    if run == [] || !Enabled(s, run[0]) then m
    else Replay(Apply(s, run[0]), run[1..], Affected(m, EffectOf(s, run[0])))
  }

  lemma {:induction false} RunEffect(s: State, run: seq<Step>, u: State)
    requires Inv(s) && ROOT in s.cells && Executes(s, run, u)
    ensures Inv(u) && ROOT in u.cells && MapOf(u) == Replay(s, run, MapOf(s))
    decreases |run|
  {
    if run != [] {
      StepEffect(s, run[0]);
      RunEffect(Apply(s, run[0]), run[1..], u);
    }
  }

  /**
   Refinement: whatever the schedule, after any run the trie holds exactly what the
   publications and leaf writes of the run amount to on a plain map.
   */
  lemma RefinesMap(s: State, K: nat, run: seq<Step>, u: State)
    requires Init(s, K) && Executes(s, run, u)
    ensures Inv(u) && ROOT in u.cells && MapOf(u) == Replay(s, run, map[])
  {
    InitInv(s, K);
    forall k: Key ensures k !in MapOf(s) {
      MapIsEntries(s, k);
    }
    assert MapOf(s) == map[];
    RunEffect(s, run, u);
  }

  /**
   Whatever the schedule is at, the published nodes form a well-formed trie, and looking
   a key up in it gives what the run wrote last at that key.
   */
  lemma ReachableTrie(s: State, K: nat, run: seq<Step>, u: State, k: Key)
    requires Init(s, K) && Executes(s, run, u)
    ensures Inv(u) && ROOT in u.cells
    ensures var t, m := TreeOf(u.cells, u.cells.Keys, ROOT, u.K, ROOT), Replay(s, run, map[]);
      WellFormed(t, u.K) && Get(t, k) == if k in m then Some(m[k]) else None
  {
    RefinesMap(s, K, run, u);
    LookupIsEntry(u, k);
    MapIsEntries(u, k);
    EntriesAreThere(u, k);
  }

  // ----- a lookup that is left alone -----

  lemma StepBefore(s: State, step: Step, run: seq<Step>, u: State)
    requires Enabled(s, step) && Executes(Apply(s, step), run, u)
    ensures Executes(s, [step] + run, u)
  {
    assert ([step] + run)[1..] == run;
  }

  /** All steps of the run are steps of the lookup `t`. */
  ghost predicate Seeks(run: seq<Step>, t: Tid) {
    forall i | 0 <= i < |run| :: run[i] == DoSeek(t)
  }

  /** How many nibbles of the key lie below the node. */
  function Depth(s: State, n: Id): nat
    requires n in s.cells && |s.cells[n].prefix| <= s.K
  {
    s.K - |s.cells[n].prefix|
  }

  lemma InBounds(s: State, n: Id)
    requires TreeOk(s) && n in s.cells
    ensures |s.cells[n].prefix| <= s.K
  {
    assert Local(s.cells, s.cells.Keys, s.K, n);
  }

  /** A lookup on the way of its key, with nobody interfering. */
  lemma {:induction false} SeekAlone(s: State, t: Tid, n: Id) returns (run: seq<Step>, u: State)
    requires Inv(s) && t in s.calls && s.calls[t].pc == Seek(n)
    requires n in s.cells && s.cells[n].prefix <= s.calls[t].key
    ensures Executes(s, run, u) && Seeks(run, t)
    ensures |s.cells[n].prefix| <= s.K && |run| <= Depth(s, n) + 1
    ensures var key := s.calls[t].key;
      t in u.calls && u.calls[t].pc == if key in s.published then Found(s.published[key].leaf) else Missing
    ensures u.cells == s.cells && u.published == s.published
    decreases if |s.cells[n].prefix| <= s.K then Depth(s, n) else 0
  {
    InBounds(s, n);
    var step, v := DoSeek(t), SeekStep(s, t);
    SeekMoves(s, t, n);
    StepInv(s, step);
    if v.calls[t].pc.Seek? {
      var c := v.calls[t].pc.node;
      if s.cells[c].prefix <= s.calls[t].key {
        run, u := SeekAlone(v, t, c);
      } else {
        run, u := [DoSeek(t)], SeekStep(v, t);
        SeekAside(v, t, c);
        assert run[1..] == [];
      }
    } else {
      run, u := [], v;
    }
    StepBefore(s, step, run, u);
    run := [step] + run;
  }

  /** One step of a lookup on its way. */
  lemma SeekMoves(s: State, t: Tid, n: Id)
    requires Inv(s) && t in s.calls && s.calls[t].pc == Seek(n) && n in s.cells && s.cells[n].prefix <= s.calls[t].key
    ensures Enabled(s, DoSeek(t))
    ensures var u, key := SeekStep(s, t), s.calls[t].key;
      && u.cells == s.cells && u.published == s.published && t in u.calls && u.calls[t].key == key && u.K == s.K
      && match u.calls[t].pc
         case Seek(c) =>
           && c in s.cells && |s.cells[n].prefix| < |s.cells[c].prefix| <= s.K
           && (s.cells[c].prefix <= key || key !in s.published)
         case Found(x) => key in s.published && x == s.published[key].leaf
         case pc => pc.Missing? && key !in s.published
  {
    assert CallOk(s, t);
    SeekAnswers(s, t);
    assert Local(s.cells, s.cells.Keys, s.K, n);
    if SeekStep(s, t).calls[t].pc.Seek? { InBounds(s, SeekStep(s, t).calls[t].pc.node); }
  }

  lemma SeekAside(s: State, t: Tid, n: Id)
    requires Inv(s) && t in s.calls && s.calls[t].pc == Seek(n)
    requires n in s.cells && !(s.cells[n].prefix <= s.calls[t].key)
    ensures Enabled(s, DoSeek(t)) && SeekStep(s, t) == SetPc(s, t, Missing)
  {
    assert CallOk(s, t);
    SeekAnswers(s, t);
  }

  /**
   A lookup that is left alone ends within one step more than there are nibbles in a
   key, with the entry of the key if there is one and with a miss otherwise.
   */
  lemma LookupEnds(z: State, K: nat, before: seq<Step>, s: State, t: Tid, key: Key)
    returns (run: seq<Step>, u: State)
    requires Init(z, K) && Executes(z, before, s) && t !in s.calls && |key| == K
    ensures Enabled(s, DoLookup(t, key))
    ensures Executes(Apply(s, DoLookup(t, key)), run, u) && Seeks(run, t) && |run| <= K + 1
    ensures Inv(s) && ROOT in s.cells && t in u.calls && u.cells == s.cells
    ensures if key in MapOf(s) then
        u.calls[t].pc.Found? && u.calls[t].pc.leaf in u.cells
        && u.cells[u.calls[t].pc.leaf].prefix == key && u.cells[u.calls[t].pc.leaf].entry == Some(MapOf(s)[key])
      else u.calls[t].pc == Missing
  {
    InitInv(z, K);
    RunInv(z, before, s);
    RunLength(z, before, s);
    StepInv(s, DoLookup(t, key));
    MapIsEntries(s, key);
    run, u := SeekAlone(Apply(s, DoLookup(t, key)), t, ROOT);
    if key in s.published { assert WinOk(s, key); }
  }

  // ----- an insert that is left alone -----

  /** A step of the insert `t` of value `e`. */
  predicate Own(step: Step, t: Tid, e: Entry) {
    match step
    case DoVisit(i, d) => i == t && d == e
    case DoChoose(i, _, d) => i == t && d == e
    case DoClimb(i) => i == t
    case DoReload(i) => i == t
    case _ => false
  }

  ghost predicate Alone(run: seq<Step>, t: Tid, e: Entry) {
    forall i | 0 <= i < |run| :: Own(run[i], t, e)
  }

  /** One step of `bump_size`. */
  lemma ClimbMoves(s: State, t: Tid, n: Id)
    requires Inv(s) && t in s.calls && s.calls[t].pc == Climb(n)
    ensures Enabled(s, DoClimb(t)) && n in s.cells && |s.cells[n].prefix| <= s.K
    ensures var u := ClimbStep(s, t);
      && u.K == s.K && t in u.calls && u.calls[t].key == s.calls[t].key
      && (u.calls[t].pc == Done(true)
          || (u.calls[t].pc.Climb? && u.calls[t].pc.node in s.cells && u.calls[t].pc.node in u.cells
              && u.cells[u.calls[t].pc.node].prefix == s.cells[u.calls[t].pc.node].prefix
              && |s.cells[n].prefix| < |s.cells[u.calls[t].pc.node].prefix| <= s.K))
  {
    assert CallOk(s, t);
    InBounds(s, n);
    if |s.cells[n].prefix| < s.K {
      WayIsOpen(s, t, n);
      var b := s.calls[t].key[|s.cells[n].prefix|];
      NoCarry(s, t, n, b, s.cells[n].slots[b]);
      InBounds(s, s.cells[n].slots[b]);
      StepGrows(s, DoClimb(t));
    }
  }

  lemma {:induction false} ClimbAlone(s: State, t: Tid, n: Id, e: Entry) returns (run: seq<Step>, u: State)
    requires Inv(s) && t in s.calls && s.calls[t].pc == Climb(n)
    ensures Executes(s, run, u) && Alone(run, t, e)
    ensures n in s.cells && |s.cells[n].prefix| <= s.K && |run| <= Depth(s, n) + 1
    ensures Inv(u) && t in u.calls && u.calls[t].pc == Done(true)
    ensures ROOT in s.cells && ROOT in u.cells && MapOf(u) == MapOf(s)
    decreases if n in s.cells && |s.cells[n].prefix| <= s.K then Depth(s, n) else 0
  {
    ClimbMoves(s, t, n);
    var step, v := DoClimb(t), ClimbStep(s, t);
    StepEffect(s, step);
    if v.calls[t].pc == Done(true) {
      run, u := [], v;
    } else {
      run, u := ClimbAlone(v, t, v.calls[t].pc.node, e);
    }
    StepBefore(s, step, run, u);
    run := [step] + run;
  }

  /** The slot of `n` towards the key of call `t`. */
  function Bits(s: State, t: Tid, n: Id): Nibble
    requires t in s.calls && n in s.cells && |s.cells[n].prefix| < |s.calls[t].key|
  {
    s.calls[t].key[|s.cells[n].prefix|]
  }

  /** Entering a node. */
  lemma VisitMoves(s: State, t: Tid, n: Id, e: Entry)
    requires Inv(s) && t in s.calls && s.calls[t].pc == Visit(n)
    ensures Enabled(s, DoVisit(t, e)) && n in s.cells && |s.cells[n].prefix| <= s.K
    ensures var u := VisitStep(s, t, e);
      && s.cells[n].prefix <= s.calls[t].key && |s.calls[t].key| == s.K
      && u.K == s.K && u.published == s.published && t in u.calls && u.calls[t].key == s.calls[t].key
      && if s.cells[n].prefix == s.calls[t].key then u.calls[t].pc == Done(false) && s.calls[t].key in s.published
         else
           && |s.cells[n].prefix| < |s.calls[t].key| && u.cells == s.cells && u.sizes == s.sizes
           && u.calls[t].pc == Choose(n, Load(s, n, Bits(s, t, n)))
  {
    assert CallOk(s, t);
    InBounds(s, n);
    if s.cells[n].prefix == s.calls[t].key { assert LeafOk(s, n); }
  }

  /** The call has seen the word that is in the slot now. */
  ghost predicate UpToDate(s: State, t: Tid, n: Id) {
    && Inv(s) && t in s.calls && n in s.cells && s.cells[n].prefix < s.calls[t].key
    && s.calls[t].pc == Choose(n, Load(s, n, Bits(s, t, n)))
  }

  /** The slot is empty: the swap publishes the leaf. */
  lemma EmptyMoves(s: State, t: Tid, n: Id, x: Id, e: Entry)
    requires UpToDate(s, t, n) && Bits(s, t, n) !in s.cells[n].slots && x !in s.cells && x < NULL
    ensures Enabled(s, DoChoose(t, x, e)) && s.calls[t].key !in s.published
    ensures var u := ChooseStep(s, t, x, e);
      t in u.calls && u.calls[t].key == s.calls[t].key && u.calls[t].pc == Climb(ROOT)
    ensures EffectOf(s, DoChoose(t, x, e)) == Write(s.calls[t].key, e)
  {
    assert CallOk(s, t);
    KeyIsNew(s, t, n, Bits(s, t, n), x);
  }

  /** The slot leads on along the key. */
  lemma ChildMoves(s: State, t: Tid, n: Id, x: Id, e: Entry)
    requires UpToDate(s, t, n) && Bits(s, t, n) in s.cells[n].slots
    requires var c := s.cells[n].slots[Bits(s, t, n)]; c in s.cells && s.cells[c].prefix <= s.calls[t].key
    ensures Enabled(s, DoChoose(t, x, e)) && EffectOf(s, DoChoose(t, x, e)) == Nothing
    ensures ChooseStep(s, t, x, e) == SetPc(s, t, Visit(s.cells[n].slots[Bits(s, t, n)]))
    ensures var c := s.cells[n].slots[Bits(s, t, n)]; |s.cells[n].prefix| < |s.cells[c].prefix| <= s.K
  {
    assert CallOk(s, t);
    InBounds(s, s.cells[n].slots[Bits(s, t, n)]);
  }

  /** The slot leads aside: the swap puts a node between, with an empty slot towards the key. */
  lemma AsideMoves(s: State, t: Tid, n: Id, x: Id, e: Entry)
    requires UpToDate(s, t, n) && Bits(s, t, n) in s.cells[n].slots && x !in s.cells && x < NULL
    requires var c := s.cells[n].slots[Bits(s, t, n)]; c in s.cells && !(s.cells[c].prefix <= s.calls[t].key)
    ensures Enabled(s, DoChoose(t, x, e)) && EffectOf(s, DoChoose(t, x, e)) == Nothing
    ensures var u := ChooseStep(s, t, x, e);
      && u.K == s.K && u.cells.Keys == s.cells.Keys + {x} && u.published == s.published
      && t in u.calls && u.calls[t].key == s.calls[t].key && u.calls[t].pc == Visit(x)
      && u.cells[x].prefix < s.calls[t].key && Bits(u, t, x) !in u.cells[x].slots
  {
    var word := Load(s, n, Bits(s, t, n)).value;
    var q, key := s.cells[word.handle].prefix, s.calls[t].key;
    assert CallOk(s, t);
    InBounds(s, word.handle);
    assert MatchLen(q, key) < |q|;
    SplitIsJoin(s, t, n, Bits(s, t, n), x, word);
  }

  /** What an insert achieves that started in `s` and ended in `u`. */
  ghost predicate Inserts(s: State, u: State, t: Tid, key: Key, e: Entry) {
    && Inv(s) && Inv(u) && ROOT in s.cells && ROOT in u.cells
    && t in u.calls && u.calls[t].pc == Done(key !in MapOf(s))
    && MapOf(u) == MapOf(s)[key := e]
  }

  lemma RootDepth(s: State, step: Step)
    requires Inv(s) && Enabled(s, step) && Inv(Apply(s, step))
    ensures var u := Apply(s, step); u.K == s.K && ROOT in u.cells && u.cells[ROOT].prefix == []
  {
    StepGrows(s, step);
  }

  /** A step that writes nothing, before an insert that is left alone. */
  lemma StepFirst(s: State, step: Step, v: State, run: seq<Step>, u: State, t: Tid, key: Key, e: Entry)
    requires Inv(s) && Enabled(s, step) && v == Apply(s, step) && EffectOf(s, step) == Nothing && Own(step, t, e)
    requires Executes(v, run, u) && Alone(run, t, e) && Inserts(v, u, t, key, e)
    ensures Executes(s, [step] + run, u) && Alone([step] + run, t, e) && Inserts(s, u, t, key, e)
  {
    StepEffect(s, step);
    StepBefore(s, step, run, u);
  }

  /** The key has a leaf: its value is overwritten. */
  lemma LeafAlone(s: State, t: Tid, n: Id, e: Entry)
    requires Inv(s) && t in s.calls && s.calls[t].pc == Visit(n) && n in s.cells && s.cells[n].prefix == s.calls[t].key
    ensures Enabled(s, DoVisit(t, e)) && Executes(s, [DoVisit(t, e)], VisitStep(s, t, e))
    ensures Inserts(s, VisitStep(s, t, e), t, s.calls[t].key, e)
  {
    VisitMoves(s, t, n, e);
    StepEffect(s, DoVisit(t, e));
    MapIsEntries(s, s.calls[t].key);
    assert [DoVisit(t, e)][1..] == [];
  }

  /** From an empty slot on. */
  lemma EmptyAlone(s: State, t: Tid, n: Id, x: Id, e: Entry) returns (run: seq<Step>, u: State)
    requires UpToDate(s, t, n) && Bits(s, t, n) !in s.cells[n].slots && x !in s.cells && x < NULL
    ensures Executes(s, run, u) && Alone(run, t, e) && |run| <= s.K + 2
    ensures Inserts(s, u, t, s.calls[t].key, e)
  {
    EmptyMoves(s, t, n, x, e);
    var step, v := DoChoose(t, x, e), ChooseStep(s, t, x, e);
    StepEffect(s, step);
    MapIsEntries(s, s.calls[t].key);
    RootDepth(s, step);
    run, u := ClimbAlone(v, t, ROOT, e);
    StepBefore(s, step, run, u);
    run := [step] + run;
  }

  /** From a node that was just put between on. */
  lemma JoinAlone(s: State, t: Tid, n: Id, x: Id, e: Entry) returns (run: seq<Step>, u: State)
    requires Inv(s) && t in s.calls && s.calls[t].pc == Visit(n) && n in s.cells && s.cells[n].prefix < s.calls[t].key
    requires Bits(s, t, n) !in s.cells[n].slots && x !in s.cells && x < NULL
    ensures Executes(s, run, u) && Alone(run, t, e) && |run| <= s.K + 3
    ensures Inserts(s, u, t, s.calls[t].key, e)
  {
    VisitMoves(s, t, n, e);
    var step, v := DoVisit(t, e), VisitStep(s, t, e);
    StepInv(s, step);
    run, u := EmptyAlone(v, t, n, x, e);
    StepFirst(s, step, v, run, u, t, s.calls[t].key, e);
    run := [step] + run;
  }

  /** The bound on the number of steps from a node. */
  function Steps(s: State, n: Id): nat
    requires n in s.cells && |s.cells[n].prefix| <= s.K
  {
    2 * Depth(s, n) + s.K + 3
  }

  lemma {:induction false} VisitAlone(s: State, t: Tid, n: Id, x: Id, y: Id, e: Entry)
    returns (run: seq<Step>, u: State)
    requires Inv(s) && t in s.calls && s.calls[t].pc == Visit(n)
    requires x !in s.cells && y !in s.cells && x < NULL && y < NULL && x != y
    ensures Executes(s, run, u) && Alone(run, t, e)
    ensures n in s.cells && |s.cells[n].prefix| <= s.K && |run| <= Steps(s, n)
    ensures Inserts(s, u, t, s.calls[t].key, e)
    decreases if n in s.cells && |s.cells[n].prefix| <= s.K then Depth(s, n) else 0, 1
  {
    VisitMoves(s, t, n, e);
    var step, v := DoVisit(t, e), VisitStep(s, t, e);
    StepInv(s, step);
    if s.cells[n].prefix == s.calls[t].key {
      run, u := [step], v;
      LeafAlone(s, t, n, e);
    } else {
      run, u := ChooseAlone(v, t, n, x, y, e);
      StepFirst(s, step, v, run, u, t, s.calls[t].key, e);
      run := [step] + run;
    }
  }

  lemma {:induction false} ChooseAlone(s: State, t: Tid, n: Id, x: Id, y: Id, e: Entry)
    returns (run: seq<Step>, u: State)
    requires UpToDate(s, t, n) && |s.cells[n].prefix| < s.K
    requires x !in s.cells && y !in s.cells && x < NULL && y < NULL && x != y
    ensures Executes(s, run, u) && Alone(run, t, e) && |run| < Steps(s, n)
    ensures Inserts(s, u, t, s.calls[t].key, e)
    decreases Depth(s, n), 0
  {
    if Bits(s, t, n) !in s.cells[n].slots {
      run, u := EmptyAlone(s, t, n, x, e);
    } else {
      SlotIsCell(s, n, Bits(s, t, n));
      if s.cells[s.cells[n].slots[Bits(s, t, n)]].prefix <= s.calls[t].key {
        ChildMoves(s, t, n, x, e);
        var step, v := DoChoose(t, x, e), ChooseStep(s, t, x, e);
        StepInv(s, step);
        run, u := VisitAlone(v, t, s.cells[n].slots[Bits(s, t, n)], x, y, e);
        StepFirst(s, step, v, run, u, t, s.calls[t].key, e);
        run := [step] + run;
      } else {
        run, u := AsideAlone(s, t, n, x, y, e);
      }
    }
  }

  lemma SlotIsCell(s: State, n: Id, b: Nibble)
    requires TreeOk(s) && n in s.cells && b in s.cells[n].slots
    ensures s.cells[n].slots[b] in s.cells
  {
    assert Local(s.cells, s.cells.Keys, s.K, n);
  }

  lemma AsideAlone(s: State, t: Tid, n: Id, x: Id, y: Id, e: Entry) returns (run: seq<Step>, u: State)
    requires UpToDate(s, t, n) && Bits(s, t, n) in s.cells[n].slots
    requires x !in s.cells && y !in s.cells && x < NULL && y < NULL && x != y
    requires var c := s.cells[n].slots[Bits(s, t, n)]; c in s.cells && !(s.cells[c].prefix <= s.calls[t].key)
    ensures Executes(s, run, u) && Alone(run, t, e) && |run| <= s.K + 4
    ensures Inserts(s, u, t, s.calls[t].key, e)
  {
    AsideMoves(s, t, n, x, e);
    var step, v := DoChoose(t, x, e), ChooseStep(s, t, x, e);
    StepInv(s, step);
    run, u := JoinAlone(v, t, x, y, e);
    StepFirst(s, step, v, run, u, t, s.calls[t].key, e);
    run := [step] + run;
  }

  /** From the loop, whatever word the call has seen: it loads the slot again. */
  lemma ReloadAlone(s: State, t: Tid, x: Id, y: Id, e: Entry) returns (run: seq<Step>, u: State)
    requires Inv(s) && t in s.calls && s.calls[t].pc.Choose?
    requires x !in s.cells && y !in s.cells && x < NULL && y < NULL && x != y
    ensures Executes(s, run, u) && Alone(run, t, e) && |run| <= 3 * s.K + 3
    ensures Inserts(s, u, t, s.calls[t].key, e)
  {
    var n := s.calls[t].pc.node;
    assert CallOk(s, t);
    InBounds(s, n);
    var step, v := DoReload(t), ReloadStep(s, t);
    StepInv(s, step);
    assert UpToDate(v, t, n);
    run, u := ChooseAlone(v, t, n, x, y, e);
    StepFirst(s, step, v, run, u, t, s.calls[t].key, e);
    run := [step] + run;
  }

  /**
   Every insert that is under way ends if it is left alone, in every reachable state that
   has two handles left.  The key then has a value; it is the value of this call unless
   the call had published it before.
   */
  lemma CallEnds(z: State, K: nat, before: seq<Step>, s: State, t: Tid, e: Entry, x: Id, y: Id)
    returns (run: seq<Step>, u: State)
    requires Init(z, K) && Executes(z, before, s) && t in s.calls
    requires s.calls[t].pc.Visit? || s.calls[t].pc.Choose? || s.calls[t].pc.Climb?
    requires x !in s.cells && y !in s.cells && x < NULL && y < NULL && x != y
    ensures Executes(s, run, u) && Alone(run, t, e) && |run| <= 3 * K + 3
    ensures if s.calls[t].pc.Climb? then
        && Inv(s) && Inv(u) && ROOT in s.cells && ROOT in u.cells && MapOf(u) == MapOf(s)
        && t in u.calls && u.calls[t].pc == Done(true)
      else Inserts(s, u, t, s.calls[t].key, e)
  {
    InitInv(z, K);
    RunInv(z, before, s);
    RunLength(z, before, s);
    match s.calls[t].pc
    case Visit(n) => run, u := VisitAlone(s, t, n, x, y, e);
    case Choose(_, _) => run, u := ReloadAlone(s, t, x, y, e);
    case Climb(n) => run, u := ClimbAlone(s, t, n, e);
  }

  /**
   An insert that is left alone ends within a number of steps linear in the length
   of a key, in every reachable state that has two handles left: the key then has the
   value, and the answer says whether it had none before.
   */
  lemma InsertEnds(z: State, K: nat, before: seq<Step>, s: State, t: Tid, key: Key, e: Entry, x: Id, y: Id)
    returns (run: seq<Step>, u: State)
    requires Init(z, K) && Executes(z, before, s) && t !in s.calls && |key| == K
    requires x !in s.cells && y !in s.cells && x < NULL && y < NULL && x != y
    ensures Enabled(s, DoInsert(t, key))
    ensures Executes(Apply(s, DoInsert(t, key)), run, u) && Alone(run, t, e) && |run| <= 3 * K + 3
    ensures Inserts(s, u, t, key, e)
  {
    InitInv(z, K);
    RunInv(z, before, s);
    RunLength(z, before, s);
    StepEffect(s, DoInsert(t, key));
    run, u := VisitAlone(Apply(s, DoInsert(t, key)), t, ROOT, x, y, e);
  }
}
